/**
 * Percent-encoding of documents. The identity service returns policy
 * documents URI-encoded and the reconcilers read them back with
 * `decodeURIComponent`. Modelled for ASCII: every ASCII character outside
 * the unreserved set is written as `%` and two upper-case hex digits,
 * characters beyond ASCII are passed through as they are. `Decode` fails
 * (as `decodeURIComponent` throws) on a `%` that is not followed by two hex
 * digits, and on an escape outside ASCII, which stands for a UTF-8 sequence.
 */
module Uri {
  import opened Results

  /** The characters `encodeURIComponent` leaves as they are. */
  predicate Unreserved(c: char)
  {
    ('A' <= c <= 'Z') || ('a' <= c <= 'z') || ('0' <= c <= '9') ||
    c == '-' || c == '_' || c == '.' || c == '!' || c == '~' || c == '*' || c == '\'' || c == '(' || c == ')'
  }

  function HexDigit(n: nat): char
    requires n < 16
  {
    "0123456789ABCDEF"[n]
  }

  function HexValue(c: char): Option<nat>
  {
    if '0' <= c <= '9' then Some(c as int - '0' as int)
    else if 'A' <= c <= 'F' then Some(c as int - 'A' as int + 10)
    else if 'a' <= c <= 'f' then Some(c as int - 'a' as int + 10)
    else None
  }

  lemma HexValueOfDigit(n: nat)
    requires n < 16
    ensures HexValue(HexDigit(n)) == Some(n)
  {
  }

  function EncodeChar(c: char): string
  {
    if Unreserved(c) || c as int >= 128 then [c]
    else ['%', HexDigit(c as int / 16), HexDigit(c as int % 16)]
  }

  function Encode(s: string): (r: string)
    ensures |r| >= |s|
    decreases |s|
  {
    if s == [] then [] else EncodeChar(s[0]) + Encode(s[1..])
  }

  function Decode(s: string): (r: Option<string>)
    ensures r.Some? ==> |r.value| <= |s|
    decreases |s|
  {
    if s == [] then Some([])
    else if s[0] != '%' then
      match Decode(s[1..])
      case Some(t) => Some([s[0]] + t)
      case None => None
    else if |s| < 3 then None
    else
      match (HexValue(s[1]), HexValue(s[2]))
      case (Some(h), Some(l)) =>
        if h * 16 + l < 128 then
          match Decode(s[3..])
          case Some(t) => Some([(h * 16 + l) as char] + t)
          case None => None
        else None
      case _ => None
  }

  lemma DecodeEncodedChar(c: char, t: string)
    ensures Decode(EncodeChar(c) + t) == match Decode(t) case Some(u) => Some([c] + u) case None => None
  {
    var s := EncodeChar(c) + t;
    if Unreserved(c) || c as int >= 128 {
      assert s[0] == c && s[1..] == t;
    } else {
      var n := c as int;
      HexValueOfDigit(n / 16);
      HexValueOfDigit(n % 16);
      assert s[0] == '%' && s[1] == HexDigit(n / 16) && s[2] == HexDigit(n % 16) && s[3..] == t;
      assert (n / 16) * 16 + n % 16 == n;
      assert (n as char) == c;
    }
  }

  /** Decoding what was encoded gives back the document. */
  lemma {:induction false} DecodeEncode(s: string)
    ensures Decode(Encode(s)) == Some(s)
    decreases |s|
  {
    if s != [] {
      DecodeEncode(s[1..]);
      DecodeEncodedChar(s[0], Encode(s[1..]));
      assert [s[0]] + s[1..] == s;
    }
  }
}
