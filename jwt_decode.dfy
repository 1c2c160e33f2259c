/**
 * The browser's unverified read of a session token (frontend/lib/jwt.ts).
 * A token in the JWS compact serialization (section 7.1 of RFC 7515) is
 * three '.'-separated segments; the second is the base64url-encoded
 * payload. The client takes that segment, maps the base64url alphabet
 * (section 5 of RFC 4648) onto the base64 one (section 4), decodes it and
 * parses the JSON. Nothing is verified, and every failure reads as "no
 * payload". Base64 decoding and JSON parsing are the browser's and are
 * parameters here.
 */
module JwtDecode {
  import opened Wrappers

  /** The claims the client reads from a parsed payload; a field that is absent or not a string is `None`. */
  datatype DecodedClaims = DecodedClaims(userId: Option<string>, orgId: Option<string>, role: Option<string>)

  /** `s.split(sep)`: the pieces between separators, at least one. */
  function Split(s: string, sep: char): (r: seq<string>)
    ensures |r| >= 1
    ensures forall i :: 0 <= i < |r| ==> sep !in r[i]
    decreases |s|
  {
    if s == [] then [""]
    else if s[0] == sep then [""] + Split(s[1..], sep)
    else
      var rest := Split(s[1..], sep);
      [[s[0]] + rest[0]] + rest[1..]
  }

  /** A string with no separator is one piece. */
  lemma {:induction false} SplitNoSeparator(s: string, sep: char)
    requires sep !in s
    ensures Split(s, sep) == [s]
    decreases |s|
  {
    if s != [] {
      assert s[0] in s;
      SplitNoSeparator(s[1..], sep);
      assert [s[0]] + s[1..] == s;
    }
  }

  /** The text before the first separator is the first piece; the rest splits on its own. */
  lemma {:induction false} SplitAtFirst(head: string, sep: char, rest: string)
    requires sep !in head
    ensures Split(head + [sep] + rest, sep) == [head] + Split(rest, sep)
    decreases |head|
  {
    if head == [] {
      assert head + [sep] + rest == [sep] + rest;
    } else {
      var whole := head + [sep] + rest;
      assert whole[0] == head[0] && head[0] in head;
      assert whole[1..] == head[1..] + [sep] + rest;
      SplitAtFirst(head[1..], sep, rest);
      assert [head[0]] + head[1..] == head;
    }
  }

  /** The alphabet mapping of one character: '-' to '+', '_' to '/', anything else unchanged. */
  function ToBase64Char(c: char): char {
    if c == '-' then '+' else if c == '_' then '/' else c
  }

  /** `s.replace(/from/g, to)` for single characters. */
  function ReplaceAll(s: string, from: char, to: char): (r: string)
    ensures |r| == |s|
    ensures forall i :: 0 <= i < |s| ==> r[i] == (if s[i] == from then to else s[i])
  {
    seq(|s|, i requires 0 <= i < |s| => if s[i] == from then to else s[i])
  }

  /** `.replace(/-/g, '+').replace(/_/g, '/')` */
  function ToBase64Alphabet(s: string): (r: string)
    ensures |r| == |s|
    ensures forall i :: 0 <= i < |s| ==> r[i] == ToBase64Char(s[i])
    ensures '-' !in r && '_' !in r
  {
    ReplaceAll(ReplaceAll(s, '-', '+'), '_', '/')
  }

  /** The reverse mapping, from the base64 alphabet to the base64url one. */
  function ToBase64UrlAlphabet(s: string): (r: string)
    ensures |r| == |s|
  {
    ReplaceAll(ReplaceAll(s, '+', '-'), '/', '_')
  }

  /** On base64url text (no '+' or '/'), mapping to base64 and back is the identity. */
  lemma AlphabetRoundTrip(s: string)
    requires '+' !in s && '/' !in s
    ensures ToBase64UrlAlphabet(ToBase64Alphabet(s)) == s
  {
    var t := ToBase64UrlAlphabet(ToBase64Alphabet(s));
    forall i | 0 <= i < |s|
      ensures t[i] == s[i]
    {
      assert s[i] in s;
    }
  }

  /** The payload segment: the second piece, if there is one and it is not empty. */
  function PayloadSegment(token: string): (r: Option<string>)
    ensures r.Some? <==> |Split(token, '.')| >= 2 && Split(token, '.')[1] != ""
    ensures r.Some? ==> r.value == Split(token, '.')[1] && '.' !in r.value
  {
    var parts := Split(token, '.');
    if |parts| < 2 || parts[1] == "" then None else Some(parts[1])
  }

  /**
   * `decodeJwtPayload(token)`: `atob` yields `None` where it throws, `parse`
   * yields `None` where `JSON.parse` throws.
   */
  function DecodeJwtPayload(token: string, atob: string -> Option<string>, parse: string -> Option<DecodedClaims>)
    : (r: Option<DecodedClaims>)
    ensures PayloadSegment(token).None? ==> r.None?
    ensures PayloadSegment(token).Some? ==>
      r == (match atob(ToBase64Alphabet(PayloadSegment(token).value))
            case None => None
            case Some(json) => parse(json))
  {
    match PayloadSegment(token)
    case None => None
    case Some(segment) =>
      match atob(ToBase64Alphabet(segment))
      case None => None
      case Some(json) => parse(json)
  }

  /** A token without a '.' has no payload. */
  lemma NoDotNoPayload(token: string, atob: string -> Option<string>, parse: string -> Option<DecodedClaims>)
    requires '.' !in token
    ensures DecodeJwtPayload(token, atob, parse) == None
  {
    SplitNoSeparator(token, '.');
  }

  /**
   * Only the payload segment is read: tokens that differ in their header or
   * signature decode alike, which is why the server must verify every token
   * itself.
   */
  lemma DecodeIgnoresHeaderAndSignature(
    header1: string, header2: string, payload: string, signature1: string, signature2: string,
    atob: string -> Option<string>, parse: string -> Option<DecodedClaims>)
    requires '.' !in header1 && '.' !in header2 && '.' !in payload
    ensures DecodeJwtPayload(header1 + "." + payload + "." + signature1, atob, parse)
         == DecodeJwtPayload(header2 + "." + payload + "." + signature2, atob, parse)
    ensures payload != "" ==>
      PayloadSegment(header1 + "." + payload + "." + signature1) == Some(payload)
  {
    SecondPiece(header1, payload, signature1);
    SecondPiece(header2, payload, signature2);
  }

  lemma SecondPiece(header: string, payload: string, signature: string)
    requires '.' !in header && '.' !in payload
    ensures |Split(header + "." + payload + "." + signature, '.')| >= 2
    ensures Split(header + "." + payload + "." + signature, '.')[1] == payload
  {
    assert header + "." + payload + "." + signature == header + ['.'] + (payload + ['.'] + signature);
    SplitAtFirst(header, '.', payload + ['.'] + signature);
    SplitAtFirst(payload, '.', signature);
  }
}
